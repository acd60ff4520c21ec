/**
 Which failure the SDK sees of a request, said stage by stage and status by status.
 */
module FailureRules {
  import opened Common
  import opened Transport
  import opened WriteOutcome

  /** What a failure of the wire is reported as: a write that may have been sent counts as unknown, whatever went wrong;
      a blocked target and foreign exceptions pass as they are; a response that is too large or unreadable is final; and
      anything else may be retried when the transport says so. */
  predicate ReportedAs(code: Code, retryable: bool, maybeSentWrite: bool, f: Failure) {
    if maybeSentWrite then f == Gateway(TransportLevel, false, true)
    else if code.ProxyTargetBlocked? then f == NotGateway
    else if code.ResponseTooLarge? || code.ResponseInvalid? then f == Gateway(TransportLevel, false, false)
    else f == Gateway(TransportLevel, retryable, false)
  }

  /** How an attempt ends for the SDK, with a response or a failure. */
  predicate AttemptComesTo(get: bool, write: bool, w: Wire, activation: Option<TransportError>, failure: Option<Failure>) {
    match w
    case Failing(stage, fault) =>
      && failure.Some?
      && var maybeSent := stage.Send? || stage.Headers?;
      (match fault
       case Foreign => failure.value == NotGateway
       case Io => ReportedAs(Unavailable, true, write && maybeSent, failure.value)
       case Raised(code, retryable) => ReportedAs(code, retryable, write && maybeSent, failure.value))
    case Answering(r) =>
      if r.status == 401 || (r.status == 403 && r.insufficientScope) then failure == Some(Gateway(Refusal, false, false))
      else if write && r.status / 100 == 3 then failure == Some(Gateway(TransportLevel, false, true))
      else if get && r.status == 200 && r.eventStream && activation.Some? then
        failure.Some? && ReportedAs(activation.value.code, activation.value.retryable, write, failure.value)
      else failure == None
  }

  lemma AttemptsComeTo(f: Flight, w: Wire, activation: Option<TransportError>)
    ensures AttemptComesTo(f.get, f.write, w, activation, OpenFailure(f, w, activation))
  {
    if w.Answering? {
      assert 300 <= w.response.status < 400 <==> w.response.status / 100 == 3;
    }
  }

  /** What stops a request before a worker has it: a name that is too slow or a passed deadline may be retried, unless a
      write may be out by then; headers that are too large are final; and a blocked target passes as it is. */
  lemma EarlyFailuresComeTo(s: State, q: Key, cause: Early)
    requires Enabled(s, FailEarly(q, cause))
    ensures
      var f := Raises(s, FailEarly(q, cause));
      match cause
      case Expired => f == Some(Gateway(TransportLevel, true, false))
      case NameTimeout => f == Some(Gateway(TransportLevel, true, false))
      case HeadersTooLarge => f == Some(Gateway(Refusal, false, false))
      case Blocked => f == Some(NotGateway)
      case DeadlinePassed =>
        f == Some(if MayBeUnknown(s.tracker) then Gateway(TransportLevel, false, true) else Gateway(TransportLevel, true, false))
    ensures Apply(s, FailEarly(q, cause)) == s.(flights := s.flights - {q})
    ensures Apply(s, Abandon(q)) == s.(flights := s.flights - {q})
  {
  }
}
