/**
 The C entry points. A pointer the caller passes is modelled as its presence
 (host, callback) or as an Option (configuration); a session handle is null or
 wraps an implementation pointer, itself null or a live session.
 */
module CaptureApi {
  import opened CaptureTypes
  import opened CaptureMath
  import opened CaptureSession

  datatype Impl = NullImpl | Impl(session: Session)
  datatype Handle = NullHandle | Handle(impl: Impl)

  /** A handle the lifecycle calls act on: neither it nor its implementation is null. */
  predicate Live(h: Handle)
  {
    h.Handle? && h.impl.Impl?
  }

  /**
   cc_create_session: null when the host, the configuration or the callback is
   missing; otherwise a handle over a new stopped session that copied the
   configuration and has a sink. The host itself is not used.
   */
  function CreateSession(hostPresent: bool, config: Option<Config>, callbackPresent: bool): (h: Handle)
    ensures h == NullHandle <==> !hostPresent || config.None? || !callbackPresent
    ensures h != NullHandle ==> Live(h)
    ensures Live(h) ==>
              && h.impl.session == NewSession(config.value, true)
              && Valid(h.impl.session)
  {
    if !hostPresent || config.None? || !callbackPresent then NullHandle
    else
      NewSessionValid(config.value, true);
      Handle(Impl(NewSession(config.value, true)))
  }

  /** cc_start_session: a no-op on a null handle or implementation, else Start. */
  function StartSession(h: Handle): (r: Handle)
    ensures !Live(h) ==> r == h
    ensures Live(h) ==> r == Handle(Impl(Start(h.impl.session)))
  {
    if h.NullHandle? || h.impl.NullImpl? then h
    else Handle(Impl(Start(h.impl.session)))
  }

  /** cc_stop_session: a no-op on a null handle or implementation, else Stop. */
  function StopSession(h: Handle): (r: Handle)
    ensures !Live(h) ==> r == h
    ensures Live(h) ==> r == Handle(Impl(Stop(h.impl.session)))
  {
    if h.NullHandle? || h.impl.NullImpl? then h
    else Handle(Impl(Stop(h.impl.session)))
  }

  /** cc_release_frame: never changes anything, for any handle and any token. */
  function ReleaseFrameCall(h: Handle, token: UInt64): (r: Handle)
    ensures r == h
  {
    if h.NullHandle? || h.impl.NullImpl? then h
    else Handle(Impl(ReleaseFrame(h.impl.session, token)))
  }

  /**
   cc_destroy_session: deleting a null handle or a null implementation does
   nothing; otherwise the implementation's destructor stops the loop, and the
   state it is torn down in is returned.
   */
  function DestroySession(h: Handle): (r: Option<Session>)
    ensures r.Some? <==> Live(h)
    ensures r.Some? ==> r.value == Destroy(h.impl.session) && !r.value.running
  {
    if h.NullHandle? || h.impl.NullImpl? then None
    else Some(Destroy(h.impl.session))
  }

  /** Starting and stopping through the C interface is idempotent, whatever the handle. */
  lemma StartStopSessionIdempotent(h: Handle)
    ensures StartSession(StartSession(h)) == StartSession(h)
    ensures StopSession(StopSession(h)) == StopSession(h)
  {
  }

  /**
   A session created through the C interface always has a sink, so its first
   start arms the loop with one worker and a zero-filled staging buffer of the
   configured size.
   */
  lemma CreatedSessionStarts(hostPresent: bool, config: Option<Config>, callbackPresent: bool)
    requires hostPresent && config.Some? && callbackPresent
    ensures var h := StartSession(CreateSession(hostPresent, config, callbackPresent));
      && Live(h)
      && h.impl.session.running
      && h.impl.session.spawned == 1
      && |h.impl.session.staging| == BufferSize(config.value)
      && Valid(h.impl.session)
  {
  }

  /**
   Destroying a valid session leaves no worker behind: every worker it ever
   spawned has been joined once destruction returns.
   */
  lemma DestroyLeavesNoWorker(h: Handle)
    requires Live(h) && Valid(h.impl.session)
    ensures var r := DestroySession(h);
      r.Some? && r.value.spawned == r.value.joined
  {
  }
}
