/**
 The capture session of the fallback build (no native compositor capturer) as a
 sequential state machine. The background worker is abstracted: arming the loop
 spawns one worker, stopping it joins that worker, and each iteration of the
 loop is a ProduceFrame step that can only do something while the session runs.
 */
module CaptureSession {
  import opened CaptureTypes
  import opened CaptureMath
  import opened CaptureFrame

  /**
   The session's state. `running` is the atomic flag the loop polls, `started`
   the plain flag Start and Stop set, `tokenCounter` the last token issued,
   `staging` the staging buffer's bytes, `spawned`/`joined` count worker threads
   started and joined, and `delivered` logs the descriptors passed to the sink.
   Configuration and callback presence are fixed at construction.
   */
  datatype Session = Session(
    config: Config,
    hasCallback: bool,
    started: bool,
    running: bool,
    tokenCounter: UInt64,
    staging: seq<bv8>,
    spawned: nat,
    joined: nat,
    delivered: seq<Frame>)

  /** A zero-filled buffer of n bytes. */
  function Zeroes(n: nat): (b: seq<bv8>)
    ensures |b| == n
    ensures forall i :: 0 <= i < n ==> b[i] == 0
  {
    seq(n, _ => 0)
  }

  /** A freshly constructed session: stopped, no token issued, empty staging buffer. */
  function NewSession(c: Config, hasCallback: bool): (s: Session)
    ensures !s.running && !s.started
    ensures s.tokenCounter == 0 && s.delivered == []
    ensures |s.staging| == 0 && s.spawned == 0 && s.joined == 0
    ensures s.config == c && s.hasCallback == hasCallback
  {
    Session(c, hasCallback, false, false, 0, [], 0, 0, [])
  }

  /**
   The session invariant. A running session has a sink, was started and owns
   exactly one unjoined worker; once a worker has been spawned the staging
   buffer is the zero-filled buffer of the configured size; the counter equals
   the number of delivered frames, whose tokens are 1, 2, 3, ... and which all
   describe the configuration.
   */
  ghost predicate Valid(s: Session)
  {
    && (s.running ==> s.hasCallback && s.started)
    && s.spawned == s.joined + (if s.running then 1 else 0)
    && (s.spawned > 0 ==> s.staging == Zeroes(BufferSize(s.config)))
    && (|s.delivered| > 0 ==> s.spawned > 0)
    && s.tokenCounter == |s.delivered|
    && (forall i :: 0 <= i < |s.delivered| ==> s.delivered[i].token == i + 1)
    && (forall i :: 0 <= i < |s.delivered| ==> DescribesConfig(s.delivered[i], s.config))
  }

  /**
   Arms the fallback loop. Without a sink nothing happens; otherwise only the
   caller that flips `running` from false to true (compare-and-set) zero-fills
   the staging buffer to the configured size and spawns the worker.
   */
  function StartFallbackLoop(s: Session): (r: Session)
    ensures r.running <==> s.running || s.hasCallback
    ensures s.hasCallback && !s.running ==>
              && r.staging == Zeroes(BufferSize(s.config))
              && r.spawned == s.spawned + 1
              && r == s.(running := true, staging := r.staging, spawned := r.spawned)
    ensures !s.hasCallback || s.running ==> r == s
  {
    if !s.hasCallback then s
    else if s.running then s
    else s.(running := true, staging := Zeroes(BufferSize(s.config)), spawned := s.spawned + 1)
  }

  /**
   Stops the fallback loop. Only the caller that flips `running` from true to
   false (exchange) joins the worker; otherwise nothing happens.
   */
  function StopFallbackLoop(s: Session): (r: Session)
    ensures !r.running
    ensures s.running ==> r == s.(running := false, joined := s.joined + 1)
    ensures !s.running ==> r == s
  {
    if !s.running then s else s.(running := false, joined := s.joined + 1)
  }

  /** Start arms the fallback loop and then marks the session started, even without a sink. */
  function Start(s: Session): (r: Session)
    ensures r.started
    ensures r.running <==> s.running || s.hasCallback
    ensures r.tokenCounter == s.tokenCounter && r.delivered == s.delivered
    ensures r.config == s.config && r.hasCallback == s.hasCallback && r.joined == s.joined
    ensures r.spawned == s.spawned + (if s.hasCallback && !s.running then 1 else 0)
  {
    StartFallbackLoop(s).(started := true)
  }

  /** Stop halts and joins the fallback loop and then marks the session stopped. */
  function Stop(s: Session): (r: Session)
    ensures !r.running && !r.started
    ensures r.tokenCounter == s.tokenCounter && r.delivered == s.delivered
    ensures r.staging == s.staging && r.spawned == s.spawned
    ensures r.joined == s.joined + (if s.running then 1 else 0)
  {
    StopFallbackLoop(s).(started := false)
  }

  /** Releasing a frame is a placeholder in the fallback build: no token changes anything. */
  function ReleaseFrame(s: Session, token: UInt64): (r: Session)
    ensures r == s
  {
    s
  }

  /**
   The destructor: it stops the fallback loop (joining the worker if one runs)
   and returns the final state the session is torn down in.
   */
  function Destroy(s: Session): (r: Session)
    ensures !r.running
    ensures r.delivered == s.delivered && r.tokenCounter == s.tokenCounter
  {
    StopFallbackLoop(s)
  }

  /**
   One iteration of the fallback loop at the given monotonic and wall-clock
   times. While the session does not run the loop does not iterate. Otherwise
   the counter is pre-incremented and a descriptor built over the staging
   buffer; with a sink it is delivered, without one the loop clears `running`
   and delivers nothing.
   */
  function ProduceFrame(s: Session, monotonic: Int64, wallClock: Int64): (r: Session)
    ensures !s.running ==> r == s
    ensures s.running ==> r.tokenCounter == NextToken(s.tokenCounter)
    ensures s.running && s.hasCallback ==>
              && r.running
              && |r.delivered| == |s.delivered| + 1
              && r.delivered[..|s.delivered|] == s.delivered
              && r.delivered[|s.delivered|] == BuildFrame(s.config, r.tokenCounter, |s.staging|, monotonic, wallClock)
    ensures s.running && !s.hasCallback ==> !r.running && r.delivered == s.delivered
    ensures r.config == s.config && r.staging == s.staging && r.started == s.started
    ensures r.spawned == s.spawned && r.joined == s.joined
  {
    if !s.running then s
    else
      var token := NextToken(s.tokenCounter);
      var frame := BuildFrame(s.config, token, |s.staging|, monotonic, wallClock);
      if s.hasCallback then s.(tokenCounter := token, delivered := s.delivered + [frame])
      else s.(tokenCounter := token, running := false)
  }

  lemma NewSessionValid(c: Config, hasCallback: bool)
    ensures Valid(NewSession(c, hasCallback))
  {
  }

  /** Start keeps the invariant, and afterwards at most one worker is alive. */
  lemma StartPreservesValid(s: Session)
    requires Valid(s)
    ensures Valid(Start(s))
    ensures Start(s).spawned - Start(s).joined <= 1
  {
  }

  /** Stop keeps the invariant, and afterwards every spawned worker has been joined. */
  lemma StopPreservesValid(s: Session)
    requires Valid(s)
    ensures Valid(Stop(s))
    ensures Stop(s).spawned == Stop(s).joined
  {
  }

  /**
   A frame step keeps the invariant as long as the uint64_t counter has room:
   the new frame carries the next token in sequence and describes the configuration.
   */
  lemma ProduceFramePreservesValid(s: Session, monotonic: Int64, wallClock: Int64)
    requires Valid(s)
    requires s.tokenCounter < UInt64Modulus - 1
    ensures Valid(ProduceFrame(s, monotonic, wallClock))
  {
  }

  /**
   Start is idempotent: a second Start changes nothing, and a Start while
   running only (re)asserts `started`, so no second worker is ever spawned.
   */
  lemma StartIdempotent(s: Session)
    ensures Start(Start(s)) == Start(s)
    ensures Valid(s) && s.running ==> Start(s) == s
  {
  }

  /** Without a sink Start never arms the loop, though it still marks the session started. */
  lemma StartWithoutSink(s: Session)
    requires Valid(s) && !s.hasCallback
    ensures !Start(s).running && Start(s).started
    ensures Start(s).spawned == s.spawned && Start(s).staging == s.staging
  {
  }

  /** Stop is idempotent: a second Stop joins nothing and changes nothing. */
  lemma StopIdempotent(s: Session)
    ensures Stop(Stop(s)) == Stop(s)
  {
  }

  /** Once stopped, the loop produces nothing until the next Start. */
  lemma NoFrameAfterStop(s: Session, monotonic: Int64, wallClock: Int64)
    ensures ProduceFrame(Stop(s), monotonic, wallClock) == Stop(s)
  {
  }

  /** The destructor leaves no worker behind: every spawned worker has been joined. */
  lemma DestroyJoinsWorker(s: Session)
    requires Valid(s)
    ensures Destroy(s).spawned == Destroy(s).joined
    ensures Destroy(s).joined == s.joined + (if s.running then 1 else 0)
  {
  }
}
