/**
 The data types shared by the compositor capture session and its C interface:
 fixed-width integer ranges, the capture configuration, the storage-kind tag and
 the frame descriptor handed to the frame sink.
 */
module CaptureTypes {

  /** The conventional Some/None datatype, used for nullable pointers. */
  datatype Option<+T> = None | Some(value: T)

  const Int32Min: int := -0x8000_0000
  const Int32Max: int := 0x7FFF_FFFF
  const Int64Min: int := -0x8000_0000_0000_0000
  const Int64Max: int := 0x7FFF_FFFF_FFFF_FFFF
  /** 2^64: the modulus of uint64_t and size_t arithmetic. */
  const UInt64Modulus: int := 0x1_0000_0000_0000_0000

  type Int32 = x: int | Int32Min <= x <= Int32Max
  type Int64 = x: int | Int64Min <= x <= Int64Max
  type UInt64 = x: int | 0 <= x < UInt64Modulus

  /** Requested size and cadence; every field is a signed 32-bit integer. */
  datatype Config = Config(
    width: Int32,
    height: Int32,
    frameRateNumerator: Int32,
    frameRateDenominator: Int32)

  /** How a frame surfaces its pixel payload; the fallback producer only uses SystemMemory. */
  datatype StorageType = SystemMemory | SharedTextureHandle | SharedMemoryHandle

  /** The uint32_t value of each enumerator. */
  function StorageCode(t: StorageType): (r: nat)
    ensures r < 3
  {
    match t
    case SystemMemory => 0
    case SharedTextureHandle => 1
    case SharedMemoryHandle => 2
  }

  /** Reads a uint32_t storage code back; codes outside the enumeration have no meaning. */
  function StorageFromCode(code: nat): (r: Option<StorageType>)
    ensures r.Some? <==> code < 3
    ensures r.Some? ==> StorageCode(r.value) == code
  {
    if code == 0 then Some(SystemMemory)
    else if code == 1 then Some(SharedTextureHandle)
    else if code == 2 then Some(SharedMemoryHandle)
    else None
  }

  /** Decoding an encoded storage kind gives it back, so the three codes are distinct. */
  lemma StorageCodeRoundTrip(t: StorageType)
    ensures StorageFromCode(StorageCode(t)) == Some(t)
  {
  }

  lemma StorageCodesDistinct(a: StorageType, b: StorageType)
    ensures StorageCode(a) == StorageCode(b) <==> a == b
  {
  }

  /** A pointer field of a frame: null, or the session's staging buffer. */
  datatype BufferRef = Null | StagingBuffer

  /** The opaque shared-memory or texture handle of a frame: absent, or some handle of the producer's. */
  datatype HandleRef = NoHandle | Opaque

  /**
   One produced frame. The pixel buffer, when not null, is the session's staging
   buffer; the shared handle is an opaque handle that the fallback producer leaves null.
   The stride is kept as a mathematical integer: see CaptureMath.StrideFitsInt32
   for when it is representable in the int32_t field.
   */
  datatype Frame = Frame(
    token: UInt64,
    pixelBuffer: BufferRef,
    sharedHandle: HandleRef,
    width: Int32,
    height: Int32,
    stride: int,
    monotonicTimestamp: Int64,
    wallClockTimestamp: Int64,
    storage: StorageType)
}
