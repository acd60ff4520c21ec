/**
 The pinned HTTP transport: when an attempt counts as dispatched, and how much of a
 response is read. Sockets, TLS and the HTTP parser are an environment that may fail
 at any stage.
 */
module Transport {
  import opened Common

  datatype Code = ProxyTargetBlocked | ResponseTooLarge | ResponseInvalid | OperationTimeout | Unavailable

  datatype TransportError = TransportError(code: Code, retryable: bool, dispatchStarted: bool)

  /** The stages of `open_stream`, in order. */
  datatype Stage = Connect | Handshake | Serialize | Send | Headers

  /** What can go wrong at a stage: an error the transport raises itself, a socket, TLS
      or HTTP failure, or any other exception. */
  datatype Fault =
    | Raised(code: Code, retryable: bool)
    | Io
    | Foreign

  datatype Response = Response(status: nat, eventStream: bool, insufficientScope: bool)

  datatype Wire = Failing(stage: Stage, fault: Fault) | Answering(response: Response)

  datatype Opened =
    | Stream(response: Response)
    | Failed(error: TransportError)
    | Escaped                       // an exception the transport does not translate

  /** The request may have left this host once `sendall` was entered. */
  predicate SendBegan(w: Wire) {
    w.Answering? || w.stage.Send? || w.stage.Headers?
  }

  function Report(f: Fault, dispatchStarted: bool): Opened {
    match f
    case Raised(code, retryable) => Failed(TransportError(code, retryable, dispatchStarted))
    case Io => Failed(TransportError(Unavailable, true, dispatchStarted))
    case Foreign => Escaped
  }

  /** What goes wrong at each stage of an attempt, if it gets there; the handshake is for `https` only. */
  datatype Script = Script(
    https: bool,
    connect: Option<Fault>,
    handshake: Option<Fault>,
    serialize: Option<Fault>,
    send: Option<Fault>,
    headers: Option<Fault>,
    response: Response)

  /** Nothing goes wrong before the stage that sends. */
  predicate ReachesSend(s: Script) {
    s.connect.None? && (s.https ==> s.handshake.None?) && s.serialize.None?
  }

  /** The first stage that fails, or the answer. */
  function WireOf(s: Script): (w: Wire)
    ensures SendBegan(w) <==> ReachesSend(s)
    ensures w.Answering? ==> w.response == s.response
  {
    if s.connect.Some? then Failing(Connect, s.connect.value)
    else if s.https && s.handshake.Some? then Failing(Handshake, s.handshake.value)
    else if s.serialize.Some? then Failing(Serialize, s.serialize.value)
    else if s.send.Some? then Failing(Send, s.send.value)
    else if s.headers.Some? then Failing(Headers, s.headers.value)
    else Answering(s.response)
  }

  /** One attempt. The error says the request was dispatched exactly when every stage before `sendall` had
      gone well, so an earlier failure is never reported as ambiguous and a later one always is. */
  method OpenStream(s: Script) returns (r: Opened)
    ensures r.Failed? ==> (r.error.dispatchStarted <==> ReachesSend(s))
    ensures r.Stream? <==> WireOf(s).Answering?
    ensures r == if WireOf(s).Answering? then Stream(s.response) else Report(WireOf(s).fault, ReachesSend(s))
  {
    var dispatchStarted := false;
    var fault := s.connect;
    if fault.None? && s.https {
      fault := s.handshake;
    }
    if fault.None? {
      fault := s.serialize;
    }
    if fault.None? {
      // marked before `sendall`, which may fail after a partial write
      dispatchStarted := true;
      fault := s.send;
      if fault.None? {
        fault := s.headers;
      }
    }
    if fault.Some? {
      return Report(fault.value, dispatchStarted);
    }
    return Stream(s.response);
  }

  datatype Arrival = Chunk(bytes: Bytes) | Eof | Broken

  /** `StreamingTransportResponse`: the owned, bounded response body. */
  class ResponseStream {
    const maxResponse: nat
    const sessionTtl: nat
    const response: Response
    var deadline: int
    var received: nat
    var persistent: bool
    var closed: bool

    /** Unless it became a session stream, an open body stays within the limit. */
    predicate Valid()
      reads this
    {
      !closed && !persistent ==> received <= maxResponse
    }

    constructor (response: Response, maxResponse: nat, sessionTtl: nat, deadline: int)
      ensures Valid() && !closed && !persistent && received == 0
      ensures this.response == response && this.deadline == deadline
      ensures this.maxResponse == maxResponse && this.sessionTtl == sessionTtl
    {
      this.response, this.maxResponse, this.sessionTtl := response, maxResponse, sessionTtl;
      this.deadline, received, persistent, closed := deadline, 0, false, false;
    }

    /** Reads once. Every failure of a body read is reported as dispatched and closes
        the stream; a chunk is handed on only within the limits. */
    method ReadChunk(now: int, arrival: Arrival) returns (r: Result<Bytes, TransportError>)
      requires Valid()
      modifies this`received, this`closed
      ensures Valid()
      ensures old(closed) ==> r == Ok([]) && closed && received == old(received)
      ensures r.Err? ==> closed && r.error.dispatchStarted
      ensures r.Ok? && r.value != [] ==>
        && !closed && now < deadline && arrival == Chunk(r.value)
        && received == old(received) + |r.value| && |r.value| <= maxResponse
      ensures r == Ok([]) && !old(closed) ==> closed && (arrival == Eof || arrival == Chunk([]))
    {
      if closed {
        return Ok([]);
      }
      if deadline - now <= 0 {
        closed := true;
        return Err(TransportError(OperationTimeout, true, true));
      }
      if arrival.Broken? {
        closed := true;
        return Err(TransportError(Unavailable, true, true));
      }
      var chunk := if arrival.Chunk? then arrival.bytes else [];
      if chunk == [] {
        closed := true;
        return Ok([]);
      }
      received := received + |chunk|;
      if (!persistent && received > maxResponse) || |chunk| > maxResponse {
        closed := true;
        return Err(TransportError(ResponseTooLarge, false, true));
      }
      return Ok(chunk);
    }

    /** Turns a validated event stream into a session stream. The new deadline never
        passes the session's own, nor the configured lifetime from now. */
    method ActivateSession(now: int, absoluteDeadline: int) returns (r: Option<TransportError>)
      requires Valid() && !closed
      modifies this
      ensures Valid()
      ensures r.None? ==>
        && response.status == 200 && response.eventStream && persistent && received == 0 && !closed
        && now < deadline && deadline <= absoluteDeadline && deadline <= now + sessionTtl
      ensures r.Some? ==> r.value.dispatchStarted && persistent == old(persistent) && deadline == old(deadline)
    {
      if response.status != 200 || !response.eventStream {
        return Some(TransportError(ResponseInvalid, false, true));
      }
      var bounded := if absoluteDeadline < now + sessionTtl then absoluteDeadline else now + sessionTtl;
      if bounded <= now {
        closed := true;
        return Some(TransportError(OperationTimeout, true, true));
      }
      deadline, received, persistent := bounded, 0, true;
      return None;
    }
  }
}
