/**
 A session's history as a sequence of atomic steps, used to state what holds
 over a whole session lifetime: tokens are 1, 2, 3, ... without gaps, Stop and
 Start never reset the counter, and delivered frames are never withdrawn.
 */
module CaptureTrace {
  import opened CaptureTypes
  import opened CaptureSession

  /** One atomic step: a public call, or one iteration of the producer loop. */
  datatype Event =
    | StartCall
    | StopCall
    | FrameTick(monotonic: Int64, wallClock: Int64)
    | ReleaseCall(token: UInt64)

  function Apply(s: Session, e: Event): (r: Session)
    ensures r.config == s.config && r.hasCallback == s.hasCallback
  {
    match e
    case StartCall => Start(s)
    case StopCall => Stop(s)
    case FrameTick(m, w) => ProduceFrame(s, m, w)
    case ReleaseCall(t) => ReleaseFrame(s, t)
  }

  /** The state after applying the events in order. */
  function Run(s: Session, es: seq<Event>): (r: Session)
    ensures r.config == s.config && r.hasCallback == s.hasCallback
    decreases |es|
  {
    if es == [] then s else Run(Apply(s, es[0]), es[1..])
  }

  /**
   Every step keeps the session invariant while the counter has room, and the
   log of delivered frames only grows: what was delivered before stays, with
   the same tokens, after any mix of Start, Stop, frames and releases.
   */
  lemma {:induction false} RunPreservesValid(s: Session, es: seq<Event>)
    requires Valid(s)
    requires s.tokenCounter + |es| < UInt64Modulus
    ensures Valid(Run(s, es))
    ensures s.delivered <= Run(s, es).delivered
    ensures Run(s, es).tokenCounter <= s.tokenCounter + |es|
    decreases |es|
  {
    if es != [] {
      var s' := Apply(s, es[0]);
      match es[0] {
        case StartCall => StartPreservesValid(s);
        case StopCall => StopPreservesValid(s);
        case FrameTick(m, w) => ProduceFramePreservesValid(s, m, w);
        case ReleaseCall(t) =>
      }
      assert s.delivered <= s'.delivered;
      assert s'.tokenCounter <= s.tokenCounter + 1;
      RunPreservesValid(s', es[1..]);
    }
  }

  /**
   Over the whole lifetime of a session, the delivered tokens are exactly
   1, 2, ..., n in delivery order, hence strictly increasing and unique, and
   the counter equals the number of frames delivered.
   */
  lemma TokensGapFree(c: Config, hasCallback: bool, es: seq<Event>)
    requires |es| < UInt64Modulus
    ensures var r := Run(NewSession(c, hasCallback), es);
      && r.tokenCounter == |r.delivered|
      && (forall i :: 0 <= i < |r.delivered| ==> r.delivered[i].token == i + 1)
      && (forall i, j :: 0 <= i < j < |r.delivered| ==> r.delivered[i].token < r.delivered[j].token)
  {
    NewSessionValid(c, hasCallback);
    RunPreservesValid(NewSession(c, hasCallback), es);
  }

  /**
   Stopping and restarting does not reset the counter: the first frame after a
   restart carries the token right after the last one delivered before.
   */
  lemma RestartContinuesTokens(s: Session, monotonic: Int64, wallClock: Int64)
    requires Valid(s) && s.hasCallback
    requires s.tokenCounter < UInt64Modulus - 1
    ensures var r := ProduceFrame(Start(Stop(s)), monotonic, wallClock);
      && r.delivered[..|s.delivered|] == s.delivered
      && |r.delivered| == |s.delivered| + 1
      && r.delivered[|s.delivered|].token == |s.delivered| + 1
  {
  }

  /** Nothing a consumer does with release tokens changes the session. */
  lemma ReleasesChangeNothing(s: Session, tokens: seq<UInt64>)
    ensures Run(s, seq(|tokens|, i requires 0 <= i < |tokens| => ReleaseCall(tokens[i]))) == s
    decreases |tokens|
  {
    var es := seq(|tokens|, i requires 0 <= i < |tokens| => ReleaseCall(tokens[i]));
    if tokens != [] {
      assert es[1..] == seq(|tokens[1..]|, i requires 0 <= i < |tokens[1..]| => ReleaseCall(tokens[1..][i]));
      ReleasesChangeNothing(s, tokens[1..]);
    }
  }
}
