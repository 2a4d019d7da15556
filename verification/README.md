# Compositor frame-capture session: a Dafny model

This project models the capture session of `CompositorCapture.cpp`. The session
streams synthetic compositor frames to a caller-supplied sink at a configured
size and cadence. The model covers the build in which no native
`viz::FrameSinkVideoCapturer` header is present, so the session drives its own
fallback producer loop. It has three parts.

- **Arithmetic** (`capture_math.dfy`, module `CaptureMath`). It covers:
  - the staging-buffer size, `width*height*4`, or 0 when a dimension is non-positive;
  - the row stride, `width*4`, or 0 when the width is non-positive;
  - the inter-frame interval in microseconds. This is `den*1_000_000/num` truncated toward zero. It falls back to 16667 when either rate component is non-positive or the quotient is not positive.
- **Frame descriptors** (`capture_frame.dfy`, module `CaptureFrame`). This is what one loop iteration builds:
  - the pre-incremented uint64 token;
  - the staging-buffer pointer, which is null exactly when the buffer is empty;
  - a null shared handle;
  - the copied dimensions and the stride;
  - both timestamps;
  - the `SystemMemory` storage tag.
- **Lifecycle** (`capture_session.dfy`, `capture_trace.dfy`, `capture_api.dfy`). The session is a sequential state machine with these fields:
  - the atomic `running` flag and the plain `started` flag;
  - the token counter;
  - the zero-filled staging buffer;
  - counts of worker threads spawned and joined;
  - the log of descriptors delivered to the sink.

  `Start` arms the loop only on the false-to-true compare-and-set. `Stop` joins only on the true-to-false exchange. Each loop iteration is a `ProduceFrame` step, which does something only while the session runs. The C entry points are total functions over a nullable handle.

The central invariant is `CaptureSession.Valid`. It says:
- a running session has a sink, is started, and owns exactly one unjoined worker;
- once a worker has been spawned, the staging buffer is the zero-filled buffer of the configured size;
- the counter equals the number of delivered frames;
- the delivered tokens are 1, 2, 3, … in order;
- every delivered frame describes the configuration.

`CaptureTrace.RunPreservesValid` proves this invariant over any sequence of starts, stops, frame steps and releases. The only requirement is that the uint64 counter does not wrap.

Two details of the code are easy to misread:
- The interval is truncated toward zero, not rounded (`static_cast<int64_t>`, CompositorCapture.cpp:167).
- Start sets `started_` even without a sink (CompositorCapture.cpp:67). Only the loop stays unarmed (CompositorCapture.cpp:109-112).

## Model

| member | source | states |
|---|---|---|
| CaptureTypes.StorageCode | Native/CompositorCapture/CompositorCapture.h:25-30 | every storage kind has a uint32 code below 3 |
| CaptureTypes.StorageFromCode | Native/CompositorCapture/CompositorCapture.h:25-30 | a storage code decodes to a kind exactly when it is 0, 1 or 2, and the decoded kind encodes back to the same code |
| CaptureTypes.StorageCodeRoundTrip | Native/CompositorCapture/CompositorCapture.h:25-30 | decoding the code of any storage kind gives that kind back |
| CaptureTypes.StorageCodesDistinct | Native/CompositorCapture/CompositorCapture.h:25-30 | two storage kinds have the same code exactly when they are the same kind, so the three values are distinct |
| CaptureMath.BufferSize | Native/CompositorCapture/CompositorCapture.cpp:138-146 | the buffer size is 0 exactly when width or height is non-positive; otherwise it is a multiple of 4 whose quarter is width*height; it always fits a 64-bit size_t |
| CaptureMath.Stride | Native/CompositorCapture/CompositorCapture.cpp:148-156 | the stride is never negative, it is 0 exactly when the width is non-positive, and a positive stride is four bytes per pixel of the width |
| CaptureMath.FrameInterval | Native/CompositorCapture/CompositorCapture.cpp:158-174 | the interval is always positive and fits int64; it is 16667 when a rate component is non-positive or den*10^6 < num; otherwise it is the q with q*num <= den*10^6 < (q+1)*num |
| CaptureMath.TruncatingQuotient | Native/CompositorCapture/CompositorCapture.cpp:165-167 | the truncated quotient q of a non-negative period by a positive divisor satisfies q*d <= n < (q+1)*d |
| CaptureMath.NextFireTime | Native/CompositorCapture/CompositorCapture.cpp:207-208 | the next deadline lies strictly after this frame's monotonic time, exactly one interval later |
| CaptureMath.BufferHoldsStrideRows | Native/CompositorCapture/CompositorCapture.cpp:138-156 | with a positive height the buffer is exactly height rows of stride bytes; with a positive width and non-positive height the stride is non-zero while the buffer is empty |
| CaptureMath.StrideFitsInt32 | Native/CompositorCapture/CompositorCapture.cpp:148-156 | the stride is representable as int32 exactly when the width is at most 0x1FFFFFFF |
| CaptureMath.IntervalExamples | Native/CompositorCapture/CompositorCapture.cpp:158-174 | a rate of 30/1 gives 33333 microseconds, and a zero numerator gives 16667 whatever the denominator |
| CaptureMath.IntervalIsQuotient | Native/CompositorCapture/CompositorCapture.cpp:165-173 | whenever a positive q satisfies q*num <= den*10^6 < (q+1)*num, the interval is that q |
| CaptureFrame.NextToken | Native/CompositorCapture/CompositorCapture.cpp:187 | the pre-increment of a uint64 counter gives the next larger token, except that it wraps to 0 at 2^64-1 |
| CaptureFrame.BuildFrame | Native/CompositorCapture/CompositorCapture.cpp:186-195 | the descriptor carries the given token; its pixel pointer is null exactly when the staging buffer is empty; its shared handle is null; it has the configured width and height, the computed stride, both timestamps and SystemMemory storage |
| CaptureFrame.BuiltFrameDescribesConfig | Native/CompositorCapture/CompositorCapture.cpp:179-195 | a frame over a buffer of the configured size has a null pointer exactly when width or height is non-positive and a zero stride exactly when the width is non-positive; a non-null buffer is exactly height rows of stride bytes |
| CaptureFrame.FullHdFrame | Native/CompositorCapture/CompositorCapture.cpp:186-195 | at 1920x1080 a frame has stride 7680 and a non-null buffer of 1920*1080*4 bytes, in system memory |
| CaptureFrame.EmptyFrame | Native/CompositorCapture/CompositorCapture.cpp:186-195 | at 0x0 a frame has a null buffer and a zero stride |
| CaptureSession.Zeroes | Native/CompositorCapture/CompositorCapture.cpp:120-121 | the staging buffer assigned on start has exactly the requested length and every byte is zero |
| CaptureSession.NewSession | Native/CompositorCapture/CompositorCapture.cpp:40-44 | a new session is stopped and not started, has issued no token, has an empty staging buffer and no worker, and keeps the configuration and callback presence |
| CaptureSession.StartFallbackLoop | Native/CompositorCapture/CompositorCapture.cpp:107-123 | afterwards the session runs exactly when it ran before or has a sink; only a stopped session with a sink gets a zero-filled buffer of the configured size and one new worker; in every other case nothing changes |
| CaptureSession.StopFallbackLoop | Native/CompositorCapture/CompositorCapture.cpp:125-136 | afterwards the session does not run; only a running session has its worker joined; a stopped one is left unchanged |
| CaptureSession.Start | Native/CompositorCapture/CompositorCapture.cpp:57-68 | afterwards the session is started, and it runs exactly when it ran before or has a sink; the counter and the delivered log are kept; a worker is spawned only for a stopped session with a sink |
| CaptureSession.Stop | Native/CompositorCapture/CompositorCapture.cpp:73-84 | afterwards the session is neither running nor started; the counter, the log and the buffer are kept; a worker is joined exactly when the session was running |
| CaptureSession.ReleaseFrame | Native/CompositorCapture/CompositorCapture.cpp:89-92 | releasing any token leaves the session unchanged |
| CaptureSession.Destroy | Native/CompositorCapture/CompositorCapture.cpp:49-52 | the destructor leaves the loop stopped and keeps the counter and the delivered log |
| CaptureSession.ProduceFrame | Native/CompositorCapture/CompositorCapture.cpp:176-210 | a stopped session produces nothing; a running session advances the counter by one token; with a sink it appends exactly one descriptor built from the new token and keeps running; without a sink it stops and delivers nothing |
| CaptureSession.NewSessionValid | Native/CompositorCapture/CompositorCapture.cpp:212-220 | a freshly constructed session satisfies the session invariant |
| CaptureSession.StartPreservesValid | Native/CompositorCapture/CompositorCapture.cpp:107-123 | Start keeps the session invariant, and afterwards at most one worker is unjoined |
| CaptureSession.StopPreservesValid | Native/CompositorCapture/CompositorCapture.cpp:125-136 | Stop keeps the session invariant, and afterwards every spawned worker has been joined |
| CaptureSession.ProduceFramePreservesValid | Native/CompositorCapture/CompositorCapture.cpp:186-205 | while the counter is below 2^64-1, a frame step keeps the invariant: the new frame carries the next token in sequence and describes the configuration |
| CaptureSession.StartIdempotent | Native/CompositorCapture/CompositorCapture.cpp:107-118 | a second Start changes nothing, and a Start on a valid running session changes nothing at all |
| CaptureSession.StartWithoutSink | Native/CompositorCapture/CompositorCapture.cpp:107-112 | without a sink Start leaves the loop unarmed, spawns no worker and leaves the buffer alone, but marks the session started |
| CaptureSession.StopIdempotent | Native/CompositorCapture/CompositorCapture.cpp:125-130 | a second Stop changes nothing and joins no worker |
| CaptureSession.NoFrameAfterStop | Native/CompositorCapture/CompositorCapture.cpp:181 | after Stop a frame step delivers nothing and changes nothing |
| CaptureSession.DestroyJoinsWorker | Native/CompositorCapture/CompositorCapture.cpp:49-52 | destroying a valid session joins its worker if it runs, after which every spawned worker has been joined |
| CaptureTrace.RunPreservesValid | Native/CompositorCapture/CompositorCapture.cpp:176-210 | any sequence of starts, stops, frame steps and releases keeps the invariant while the counter has room; delivered frames stay a prefix of the log; the counter grows by at most one per step |
| CaptureTrace.TokensGapFree | Native/CompositorCapture/CompositorCapture.cpp:187 | over a session's whole lifetime the delivered tokens are exactly 1..n in delivery order, so they are strictly increasing, and the counter equals n |
| CaptureTrace.RestartContinuesTokens | Native/CompositorCapture/CompositorCapture.cpp:57-84 | Stop followed by Start does not reset the counter: the next frame keeps every earlier frame and carries the token after the last one delivered |
| CaptureTrace.ReleasesChangeNothing | Native/CompositorCapture/CompositorCapture.cpp:89-92 | any sequence of frame releases, with any tokens, leaves the session unchanged |
| CaptureApi.CreateSession | Native/CompositorCapture/CompositorCapture.cpp:241-250 | creation returns null exactly when the host, the configuration or the callback is missing; otherwise it returns a live handle over a new, valid, stopped session that has a sink |
| CaptureApi.StartSession | Native/CompositorCapture/CompositorCapture.cpp:252-260 | a null handle or a null implementation is left unchanged; otherwise the session is started |
| CaptureApi.StopSession | Native/CompositorCapture/CompositorCapture.cpp:262-270 | a null handle or a null implementation is left unchanged; otherwise the session is stopped |
| CaptureApi.ReleaseFrameCall | Native/CompositorCapture/CompositorCapture.cpp:272-280 | releasing a frame leaves every handle unchanged, null or not |
| CaptureApi.DestroySession | Native/CompositorCapture/CompositorCapture.cpp:282-285 | destroying a handle yields a final state exactly when the handle is live, and that state is stopped |
| CaptureApi.StartStopSessionIdempotent | Native/CompositorCapture/CompositorCapture.cpp:252-270 | for every handle, starting twice equals starting once and stopping twice equals stopping once |
| CaptureApi.CreatedSessionStarts | Native/CompositorCapture/CompositorCapture.cpp:241-260 | a session created with a host, a configuration and a callback is armed by its first start, with one worker and a staging buffer of the configured size |
| CaptureApi.DestroyLeavesNoWorker | Native/CompositorCapture/CompositorCapture.cpp:282-285 | once a valid live session is destroyed, every worker it spawned has been joined |

## Left out

- Threads and atomics are not modelled. Each step is atomic here: `std::thread` creation and join, memory ordering, and the window in which one more frame can be produced after Stop are abstracted. Spawned and joined workers are counted instead.
- Clocks and sleeping are not modelled. `steady_clock::now`, `system_clock::now` and `sleep_until` are real-time I/O, so timestamps are inputs to `ProduceFrame`. The sleep is represented only by `NextFireTime`.
- CaptureMath.FrameInterval: computes the interval as an exact integer quotient. The code divides in binary floating point and then truncates, so the result can be one microsecond lower when the exact quotient is an integer. An example is numerator 5, denominator 41: the exact quotient is 8200000, while the double computation gives 8199999. That rounding is not covered.
- CaptureSession.StartFallbackLoop: assumes that zero-filling the staging buffer and creating the worker thread (CompositorCapture.cpp:121-122) always succeed. Either can throw, for example `bad_alloc` for a buffer of up to 4*(2^31-1)^2 bytes, or `system_error` from `std::thread`. Both happen after the compare-and-set (CompositorCapture.cpp:115) has already set `running_`. The exception would leave `running_` true with no worker. Later Starts do not arm the loop, though they still set `started_`, until a Stop clears `running_`. That Stop joins nothing, because the thread object is not joinable (CompositorCapture.cpp:132), and the next Start arms normally. The model has no such failed-arm state.
- CaptureSession.Start: inherits the same assumption. A throwing arm would also propagate out of `cc_start_session` before `started_` is set (CompositorCapture.cpp:65-67), which the model does not represent.
- CaptureMath.Stride: keeps the mathematical value `width*4`. In the code, a width above 0x1FFFFFFF overflows signed 32-bit arithmetic, which is undefined behaviour. `StrideFitsInt32` states the bound instead.
- CaptureMath.BufferSize: assumes a 64-bit `size_t`. On a 32-bit target the product could wrap.
- CaptureTrace.TokensGapFree: requires fewer than 2^64 steps. `NextToken` models the uint64 wrap-around, after which tokens would restart at 0.
- The native `viz::FrameSinkVideoCapturer` branch is not modelled. It is a compile-time alternative that calls an external library. In the fallback build its `Start`/`Stop` are empty stubs, and `CreateCapturer` allocates one that nothing uses.
- The browser host is not modelled. It is taken as a presence flag at creation and is otherwise unused, and the code does no begin-frame-mode toggling.
- Memory management is not modelled: `new`/`delete` of the session handle and its implementation, and the staging buffer's address. The buffer is modelled by its zero-filled contents only.
- The sink callback body and `user_data` are external. The callback is a presence flag, and its calls are the log of delivered descriptors.
- The loop branch that finds no sink clears `running` without joining the worker. That branch is modelled in `ProduceFrame`. However, `Valid` shows it cannot occur through the session, because the callback is fixed at construction and the loop is never armed without one.
