/**
 Construction of the frame descriptor that one iteration of the fallback
 producer loop hands to the frame sink.
 */
module CaptureFrame {
  import opened CaptureTypes
  import opened CaptureMath

  /** The token the pre-increment `++counter` yields on a uint64_t counter. */
  function NextToken(counter: UInt64): (r: UInt64)
    ensures counter < UInt64Modulus - 1 ==> r == counter + 1 && r > counter
    ensures counter == UInt64Modulus - 1 ==> r == 0
  {
    var next := counter + 1;
    if next == UInt64Modulus then 0 else next
  }

  /**
   The descriptor of one synthetic frame: the given token, the staging buffer
   (null when it is empty), no shared handle, the configured dimensions with
   their stride, both timestamps, and system-memory storage.
   */
  function BuildFrame(c: Config, token: UInt64, stagingLength: nat, monotonic: Int64, wallClock: Int64): (f: Frame)
    ensures f.token == token
    ensures f.pixelBuffer == Null <==> stagingLength == 0
    ensures f.sharedHandle == NoHandle
    ensures f.width == c.width && f.height == c.height
    ensures f.stride == Stride(c)
    ensures f.monotonicTimestamp == monotonic && f.wallClockTimestamp == wallClock
    ensures f.storage == SystemMemory
  {
    Frame(
      token,
      if stagingLength == 0 then Null else StagingBuffer,
      NoHandle,
      c.width,
      c.height,
      Stride(c),
      monotonic,
      wallClock,
      SystemMemory)
  }

  /**
   What every frame of a session with configuration c looks like, whatever its
   token and timestamps: the staging buffer has the configured size, so the
   pixel pointer is null exactly when a dimension is non-positive.
   */
  predicate DescribesConfig(f: Frame, c: Config)
  {
    && (f.pixelBuffer == Null <==> BufferSize(c) == 0)
    && f.sharedHandle == NoHandle
    && f.width == c.width
    && f.height == c.height
    && f.stride == Stride(c)
    && f.storage == SystemMemory
  }

  /**
   A frame built over a staging buffer of the configured size describes the
   configuration: its pointer is null exactly when width or height is
   non-positive, its stride is zero exactly when the width is non-positive, and
   a non-null buffer holds exactly height rows of stride bytes.
   */
  lemma BuiltFrameDescribesConfig(c: Config, token: UInt64, monotonic: Int64, wallClock: Int64)
    ensures var f := BuildFrame(c, token, BufferSize(c), monotonic, wallClock);
      && DescribesConfig(f, c)
      && (f.pixelBuffer == Null <==> c.width <= 0 || c.height <= 0)
      && (f.stride == 0 <==> c.width <= 0)
      && (f.pixelBuffer != Null ==> BufferSize(c) == f.stride * f.height)
  {
  }

  /** The full-HD example: 1920x1080 gives stride 7680 over a 1920*1080*4-byte buffer. */
  lemma FullHdFrame(c: Config, token: UInt64, monotonic: Int64, wallClock: Int64)
    requires c.width == 1920 && c.height == 1080
    ensures var f := BuildFrame(c, token, BufferSize(c), monotonic, wallClock);
      && f.stride == 7680
      && f.pixelBuffer == StagingBuffer
      && BufferSize(c) == 1920 * 1080 * 4
      && f.storage == SystemMemory
  {
  }

  /** The empty example: a 0x0 configuration gives a null buffer and a zero stride. */
  lemma EmptyFrame(c: Config, token: UInt64, monotonic: Int64, wallClock: Int64)
    requires c.width == 0 && c.height == 0
    ensures var f := BuildFrame(c, token, BufferSize(c), monotonic, wallClock);
      f.stride == 0 && f.pixelBuffer == Null
  {
  }
}
